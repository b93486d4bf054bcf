/**
 Particular runs of limiter and guard: what a sequential client sees, and a concurrent run
 that attains the bound on invalid responses; and the middleware as code over its two
 counters.
 */
module GateRuns {
  import opened Gate
  import opened Modular

  lemma {:induction false} RunConcat(cfg: Config, s: State, a: seq<Step>, b: seq<Step>)
    ensures Run(cfg, s, a + b) == Run(cfg, Run(cfg, s, a), b)
    decreases |a|
  {
    hide Next;
    if a == [] {
      assert a + b == b;
    } else {
      RunConcat(cfg, Next(cfg, s, a[0]), a[1..], b);
      assert (a + b)[0] == a[0] && (a + b)[1..] == a[1..] + b;
    }
  }

  lemma RunNothing(cfg: Config, s: State)
    ensures Run(cfg, s, []) == s
  {
  }

  lemma RunOne(cfg: Config, s: State, step: Step)
    ensures Run(cfg, s, [step]) == Next(cfg, s, step)
  {
    hide Next;
    assert [step][1..] == [];
    assert Run(cfg, Next(cfg, s, step), []) == Next(cfg, s, step);
  }

  // ----- a sequential client -----

  /** One guarded request from entering to leaving; of `Reset` and `Finish` only one is enabled. */
  function Alone(r: nat, outcome: Outcome): seq<Step> {
    [Enter(r, true), Load(r), Reset(r), Finish(r, outcome), Leave(r)]
  }

  /** Nobody is in flight. */
  function Quiet(consecutiveInvalid: int, log: seq<Response>): State {
    State(0, consecutiveInvalid, map[], log)
  }

  /** The five steps, one after the other. */
  lemma RunFive(cfg: Config, s: State, steps: seq<Step>)
    requires |steps| == 5
    ensures Run(cfg, s, steps) ==
      Next(cfg, Next(cfg, Next(cfg, Next(cfg, Next(cfg, s, steps[0]), steps[1]), steps[2]), steps[3]), steps[4])
  {
    hide Next;
    assert steps == [steps[0]] + [steps[1]] + [steps[2]] + [steps[3]] + [steps[4]];
    RunConcat(cfg, s, [steps[0]] + [steps[1]] + [steps[2]] + [steps[3]], [steps[4]]);
    RunConcat(cfg, s, [steps[0]] + [steps[1]] + [steps[2]], [steps[3]]);
    RunConcat(cfg, s, [steps[0]] + [steps[1]], [steps[2]]);
    RunConcat(cfg, s, [steps[0]], [steps[1]]);
    RunOne(cfg, s, steps[0]);
    var s1 := Next(cfg, s, steps[0]);
    RunOne(cfg, s1, steps[1]);
    var s2 := Next(cfg, s1, steps[1]);
    RunOne(cfg, s2, steps[2]);
    var s3 := Next(cfg, s2, steps[2]);
    RunOne(cfg, s3, steps[3]);
    RunOne(cfg, Next(cfg, s3, steps[3]), steps[4]);
  }

  /** How a request is answered that finds the counter below the threshold. */
  function Answer(outcome: Outcome): Response {
    match outcome
    case Good => Valid
    case TooMany => Throttled
    case Failed => Invalid
    case Panicked => Invalid
  }

  /**
   A request served alone. At the threshold the guard answers 429 and starts over; below it
   a failure or a panic is one more invalid response, a valid response starts over, and a
   429 of the handler's own changes nothing.
   */
  lemma ServedAlone(cfg: Config, r: nat, counter: int, log: seq<Response>, outcome: Outcome)
    requires cfg.limit >= 1 && cfg.threshold >= 1
    ensures Run(cfg, Quiet(counter, log), Alone(r, outcome)) ==
      if counter >= cfg.threshold then Quiet(0, log + [Throttled])
      else match outcome
        case Good => Quiet(0, log + [Valid])
        case TooMany => Quiet(counter, log + [Throttled])
        case Failed => Quiet(counter + 1, log + [Invalid])
        case Panicked => Quiet(counter + 1, log + [Invalid])
  {
    var s, steps := Quiet(counter, log), Alone(r, outcome);
    RunFive(cfg, s, steps);
    var s1 := Next(cfg, s, steps[0]);
    assert s1 == State(1, counter, map[r := Admitted(true)], log);
    var s2 := Next(cfg, s1, steps[1]);
    if counter >= cfg.threshold {
      assert s2 == State(1, counter, map[r := Tripped], log);
      var s3 := Next(cfg, s2, steps[2]);
      assert s3 == State(1, 0, map[r := Leaving], log + [Throttled]);
      assert Next(cfg, s3, steps[3]) == s3;
    } else {
      assert s2 == State(1, counter, map[r := Running], log);
      assert Next(cfg, s2, steps[2]) == s2;
      assert Next(cfg, s2, steps[3]).phases == map[r := Leaving];
    }
    assert Without(map[r := Leaving], r) == map[];
  }

  // ----- a sequential client with any outcomes -----

  /** The first `n` requests, one after the other, each ending as `outcomes` says if it reaches the handler. */
  function Serial(outcomes: seq<Outcome>, n: nat): seq<Step>
    requires n <= |outcomes|
  {
    if n == 0 then [] else Serial(outcomes, n - 1) + Alone(n - 1, outcomes[n - 1])
  }

  predicate Bad(outcome: Outcome) {
    outcome == Failed || outcome == Panicked
  }

  /** Failures and panics among requests `from` to `to`. */
  function BadCount(outcomes: seq<Outcome>, from: nat, to: nat): nat
    requires from <= to <= |outcomes|
  {
    if from == to then 0 else BadCount(outcomes, from, to - 1) + (if Bad(outcomes[to - 1]) then 1 else 0)
  }

  /** Request `i` is answered by the guard: `t` failures or panics since the last fresh start. */
  predicate Guarded(t: nat, outcomes: seq<Outcome>, i: nat)
    requires i < |outcomes|
    decreases i, 1
  {
    BadCount(outcomes, FreshStart(t, outcomes, i), i) >= t
  }

  /** Where counting starts for request `i`: behind the last valid response or guard 429. */
  function FreshStart(t: nat, outcomes: seq<Outcome>, i: nat): (from: nat)
    requires i <= |outcomes|
    ensures from <= i
    decreases i, 0
  {
    if i == 0 then 0
    else if Guarded(t, outcomes, i - 1) || outcomes[i - 1] == Good then i
    else FreshStart(t, outcomes, i - 1)
  }

  /** `FreshStart` is what it says; a 429 of the handler's own is no fresh start. */
  lemma {:induction false} FreshStartMeans(t: nat, outcomes: seq<Outcome>, i: nat)
    requires i <= |outcomes|
    ensures var from := FreshStart(t, outcomes, i);
      && (from > 0 ==> Guarded(t, outcomes, from - 1) || outcomes[from - 1] == Good)
      && forall k :: from <= k < i ==> !Guarded(t, outcomes, k) && outcomes[k] != Good
  {
    if i > 0 && !Guarded(t, outcomes, i - 1) && outcomes[i - 1] != Good {
      FreshStartMeans(t, outcomes, i - 1);
    }
  }

  /** What the client sees. */
  function Answers(t: nat, outcomes: seq<Outcome>, n: nat): seq<Response>
    requires n <= |outcomes|
  {
    seq(n, i requires 0 <= i < n => if Guarded(t, outcomes, i) then Throttled else Answer(outcomes[i]))
  }

  lemma AnswersStep(t: nat, outcomes: seq<Outcome>, k: nat)
    requires k < |outcomes|
    ensures Answers(t, outcomes, k + 1) ==
      Answers(t, outcomes, k) + [if Guarded(t, outcomes, k) then Throttled else Answer(outcomes[k])]
  {
    hide Guarded;
  }

  /**
   Any sequential client: the guard answers a request with 429 exactly when `t` failures or
   panics came since the last valid response or guard 429; otherwise the handler answers.
   */
  lemma {:induction false} SerialAnswers(cfg: Config, t: nat, outcomes: seq<Outcome>, n: nat)
    requires cfg.limit >= 1 && t >= 1 && cfg.threshold == t && n <= |outcomes|
    ensures Run(cfg, START, Serial(outcomes, n)) ==
      Quiet(BadCount(outcomes, FreshStart(t, outcomes, n), n), Answers(t, outcomes, n))
  {
    hide Next, Run, Answers;
    if n == 0 {
      RunNothing(cfg, START);
      NoAnswers(t, outcomes);
    } else {
      var k := n - 1;
      SerialAnswers(cfg, t, outcomes, k);
      RunConcat(cfg, START, Serial(outcomes, k), Alone(k, outcomes[k]));
      ServedAlone(cfg, k, BadCount(outcomes, FreshStart(t, outcomes, k), k), Answers(t, outcomes, k), outcomes[k]);
      AnswersStep(t, outcomes, k);
    }
  }

  lemma NoAnswers(t: nat, outcomes: seq<Outcome>)
    ensures Answers(t, outcomes, 0) == []
  {
  }

  /** In any interleaving a handler's end is logged as its answer: a panic, too, is an invalid response. */
  lemma HandlerAnswers(cfg: Config, steps: seq<Step>, r: nat, outcome: Outcome)
    requires r in Run(cfg, START, steps).phases && Run(cfg, START, steps).phases[r].Running?
    ensures var s := Run(cfg, START, steps);
      var t := Next(cfg, s, Finish(r, outcome));
      && t.log == s.log + [Answer(outcome)]
      && t.consecutiveInvalid ==
           (if Bad(outcome) then s.consecutiveInvalid + 1 else if outcome == Good then 0 else s.consecutiveInvalid)
  {
  }

  /** `n` failing requests, one after the other. */
  function Failures(n: nat): seq<Step> {
    if n == 0 then [] else Failures(n - 1) + Alone(n - 1, Failed)
  }

  /** Every `t + 1`-st response is a 429. */
  function Pattern(t: nat, n: nat): seq<Response> {
    seq(n, i requires 0 <= i < n => if i % (t + 1) == t then Throttled else Invalid)
  }

  lemma NextRemainder(n: nat, m: nat)
    requires m > 0
    ensures (n + 1) % m == if n % m == m - 1 then 0 else n % m + 1
  {
    var q, r := n / m, n % m;
    assert n == m * q + r;
    if r == m - 1 {
      NextMultiple(m, q);
      RemainderIs(n + 1, m, q + 1, 0);
    } else {
      RemainderIs(n + 1, m, q, r + 1);
    }
  }

  lemma NextMultiple(m: int, q: int)
    ensures m * (q + 1) == m * q + m
  {
  }

  lemma PatternStep(t: nat, k: nat)
    ensures Pattern(t, k + 1) == Pattern(t, k) + [if k % (t + 1) == t then Throttled else Invalid]
  {
  }

  lemma PatternStart(t: nat, n: nat)
    requires n <= t
    ensures n % (t + 1) == n && Pattern(t, n) == Invalids(n)
  {
    RemainderIs(n, t + 1, 0, n);
    forall i | 0 <= i < n ensures Pattern(t, n)[i] == Invalid {
      RemainderIs(i, t + 1, 0, i);
    }
  }

  /**
   A client that fails one request after the other sees `t` invalid responses, then one
   429, and so on: the responses repeat with period `t + 1`.
   */
  lemma {:induction false} SequentialPattern(cfg: Config, t: nat, n: nat)
    requires cfg.limit >= 1 && t >= 1 && cfg.threshold == t
    ensures Run(cfg, START, Failures(n)) == Quiet(n % (t + 1), Pattern(t, n))
  {
    hide Next, Run;
    if n == 0 {
      RunNothing(cfg, START);
      PatternStart(t, 0);
    } else {
      var k := n - 1;
      SequentialPattern(cfg, t, k);
      RunConcat(cfg, START, Failures(k), Alone(k, Failed));
      ServedAlone(cfg, k, k % (t + 1), Pattern(t, k), Failed);
      NextRemainder(k, t + 1);
      PatternStep(t, k);
    }
  }

  // ----- a run that attains the bound -----

  /** `n` requests enter and pass the guard's load before any of them finishes. */
  function Arrivals(n: nat): seq<Step> {
    if n == 0 then [] else Arrivals(n - 1) + [Enter(n - 1, true)] + [Load(n - 1)]
  }

  function FirstRunning(n: nat): (m: map<nat, Phase>)
    ensures forall r: nat :: r in m <==> r < n
    ensures forall r: nat :: r in m ==> m[r] == Running
  {
    if n == 0 then map[] else FirstRunning(n - 1)[n - 1 := Running]
  }

  lemma {:induction false} AfterArrivals(cfg: Config, counter: int, log: seq<Response>, n: nat)
    requires n <= cfg.limit && counter < cfg.threshold
    ensures Run(cfg, Quiet(counter, log), Arrivals(n)) == State(n, counter, FirstRunning(n), log)
  {
    var s := Quiet(counter, log);
    if n == 0 {
      assert FirstRunning(0) == map[];
    } else {
      var k := n - 1;
      AfterArrivals(cfg, counter, log, k);
      var before := State(k, counter, FirstRunning(k), log);
      var entered := Next(cfg, before, Enter(k, true));
      RunConcat(cfg, s, Arrivals(k) + [Enter(k, true)], [Load(k)]);
      RunConcat(cfg, s, Arrivals(k), [Enter(k, true)]);
      RunOne(cfg, before, Enter(k, true));
      RunOne(cfg, entered, Load(k));
      assert entered.phases[k := Running] == FirstRunning(n);
    }
  }

  function FinishAll(n: nat): seq<Step> {
    if n == 0 then [] else FinishAll(n - 1) + [Finish(n - 1, Failed)]
  }

  /** Of `total` requests the first `n` have failed and are leaving. */
  function FirstLeaving(n: nat, total: nat): (m: map<nat, Phase>)
    requires n <= total
    ensures forall r: nat :: r in m <==> r < total
    ensures forall r: nat :: r in m ==> m[r] == if r < n then Leaving else Running
  {
    if n == 0 then FirstRunning(total) else FirstLeaving(n - 1, total)[n - 1 := Leaving]
  }

  function Invalids(n: nat): seq<Response> {
    seq(n, _ => Invalid)
  }

  lemma {:induction false} AfterFinishes(cfg: Config, counter: nat, total: nat, n: nat)
    requires n <= total
    ensures Run(cfg, State(total, counter, FirstRunning(total), Invalids(counter)), FinishAll(n)) ==
      State(total, counter + n, FirstLeaving(n, total), Invalids(counter + n))
  {
    var s := State(total, counter, FirstRunning(total), Invalids(counter));
    if n == 0 {
      assert FirstLeaving(0, total) == FirstRunning(total);
    } else {
      var k := n - 1;
      AfterFinishes(cfg, counter, total, k);
      var before := State(total, counter + k, FirstLeaving(k, total), Invalids(counter + k));
      RunConcat(cfg, s, FinishAll(k), [Finish(k, Failed)]);
      RunOne(cfg, before, Finish(k, Failed));
      assert FirstLeaving(k, total)[k := Leaving] == FirstLeaving(n, total);
      assert Invalids(counter + k) + [Invalid] == Invalids(counter + n);
    }
  }

  /** `t - 1` failures in a row, then `limit` concurrent ones. */
  function WorstCase(t: nat, limit: nat): seq<Step>
    requires t >= 1
  {
    Failures(t - 1) + Arrivals(limit) + FinishAll(limit)
  }

  /**
   The bound is attained for every threshold and limit: with a limit of one a run shows `t`
   consecutive invalid responses, not fewer.
   */
  lemma BoundAttained(cfg: Config, t: nat)
    requires cfg.limit >= 1 && t >= 1 && cfg.threshold == t
    ensures LongestStreak(Run(cfg, START, WorstCase(t, cfg.limit)).log) == t - 1 + cfg.limit
  {
    hide Next, Run;
    var n := t - 1;
    SequentialPattern(cfg, t, n);
    PatternStart(t, n);
    AfterArrivals(cfg, n, Invalids(n), cfg.limit);
    AfterFinishes(cfg, n, cfg.limit, cfg.limit);
    RunConcat(cfg, START, Failures(n) + Arrivals(cfg.limit), FinishAll(cfg.limit));
    RunConcat(cfg, START, Failures(n), Arrivals(cfg.limit));
    StreakBounded(cfg, WorstCase(t, cfg.limit));
    StretchWithin(Invalids(n + cfg.limit), 0, n + cfg.limit);
  }

  // ----- the middleware as code -----

  /** The two package-level atomics; each method is one atomic access, `state` the run so far. */
  class Middleware {
    const cfg: Config
    var inFlightRequests: int
    var consecutiveInvalid: int
    ghost var state: State

    ghost predicate Valid()
      reads this
    {
      inFlightRequests == state.inFlight && consecutiveInvalid == state.consecutiveInvalid
    }

    constructor (cfg: Config)
      ensures Valid() && this.cfg == cfg && state == START
    {
      this.cfg := cfg;
      inFlightRequests, consecutiveInvalid := 0, 0;
      state := START;
    }

    /** The limiter's increment and its test. */
    method Enter(r: nat, guarded: bool) returns (letIn: bool)
      requires Valid() && r !in state.phases
      modifies this
      ensures Valid() && state == Next(cfg, old(state), Step.Enter(r, guarded))
      ensures letIn <==> state.phases[r] == Admitted(guarded)
    {
      inFlightRequests := inFlightRequests + 1;
      letIn := inFlightRequests <= cfg.limit;
      state := Next(cfg, state, Step.Enter(r, guarded));
    }

    /** A rejected request takes its increment back and answers 429. */
    method Reject(r: nat)
      requires Valid() && r in state.phases && state.phases[r].Rejecting?
      modifies this
      ensures Valid() && state == Next(cfg, old(state), Step.Reject(r))
    {
      inFlightRequests := inFlightRequests - 1;
      state := Next(cfg, state, Step.Reject(r));
    }

    /** The guard's load. */
    method Load(r: nat) returns (tripped: bool)
      requires Valid() && r in state.phases && state.phases[r] == Admitted(true)
      modifies `state
      ensures Valid() && state == Next(cfg, old(state), Step.Load(r))
      ensures state.phases[r] == if tripped then Tripped else Running
    {
      tripped := cfg.threshold > 0 && consecutiveInvalid >= cfg.threshold;
      state := Next(cfg, state, Step.Load(r));
    }

    /** The guard's store of zero, with its 429. */
    method Reset(r: nat)
      requires Valid() && r in state.phases && state.phases[r].Tripped?
      modifies this
      ensures Valid() && state == Next(cfg, old(state), Step.Reset(r))
    {
      consecutiveInvalid := 0;
      state := Next(cfg, state, Step.Reset(r));
    }

    /** The guard's deferred function: panics and error statuses count, 429 does not, the rest resets. */
    method Finish(r: nat, outcome: Outcome)
      requires Valid() && r in state.phases && state.phases[r].Running?
      modifies this
      ensures Valid() && state == Next(cfg, old(state), Step.Finish(r, outcome))
    {
      if outcome == Panicked {
        consecutiveInvalid := consecutiveInvalid + 1;
      } else if outcome == TooMany {
        // a 429 leaves the counter alone
      } else if outcome == Failed {
        consecutiveInvalid := consecutiveInvalid + 1;
      } else {
        consecutiveInvalid := 0;
      }
      state := Next(cfg, state, Step.Finish(r, outcome));
    }

    /** The limiter's deferred decrement. */
    method Leave(r: nat)
      requires Valid() && r in state.phases && state.phases[r].Leaving?
      modifies this
      ensures Valid() && state == Next(cfg, old(state), Step.Leave(r))
    {
      inFlightRequests := inFlightRequests - 1;
      state := Next(cfg, state, Step.Leave(r));
    }

    /** A guarded request run alone through limiter, guard and handler. */
    method Serve(r: nat, outcome: Outcome)
      requires Valid() && cfg.limit >= 1 && state.phases == map[] && state.inFlight == 0
      modifies this
      ensures Valid() && state == Run(cfg, old(state), Alone(r, outcome))
    {
      RunFive(cfg, state, Alone(r, outcome));
      var letIn := Enter(r, true);
      assert letIn;
      var tripped := Load(r);
      if tripped {
        Reset(r);
      } else {
        Finish(r, outcome);
      }
      Leave(r);
    }
  }
}
