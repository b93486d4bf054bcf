/**
 The session protocol on the sharded cache: the requests of `Sessions` take their entries
 from the shards and write into them while the collector runs in its two phases. Every
 request ends as it does on a plain map, so the promises of `Sessions` hold here too.
 */
module ShardedSessions {
  import opened Common
  import opened Types
  import opened Cache
  import CacheRuns
  import opened Spans
  import opened Collect
  import opened EndToEnd
  import opened Tokens
  import opened Weaving
  import opened Maskers
  import opened RoundTrips
  import opened Service
  import opened Sessions

  datatype ServerStep = Client(step: Step) | Collect(sweep: CacheRuns.Sweep)

  datatype Server = Server(shards: Shards, clock: int, gc: CacheRuns.Collector, requests: map<nat, Request>)

  ghost predicate InRange(s: Server) {
    |s.shards| == NUM_SHARDS && CacheRuns.CollectorInRange(s.gc)
  }

  function ClientStep(w: World, s: Server, step: Step): (t: Server)
    requires |s.shards| == NUM_SHARDS
    ensures |t.shards| == NUM_SHARDS && t.gc == s.gc
  {
    if step.Advance? then s.(clock := s.clock + step.d)
    else if step.Arrive? then
      if step.r in s.requests then s
      else s.(requests := s.requests[step.r := Request(step.id, step.payload, Arrived)])
    else if step.r in s.requests then
      var q := s.requests[step.r];
      s.(requests := s.requests[step.r := Moved(w, q, step, s.clock, Lookup(s.shards, q.id))],
         shards := if step.Store? && q.phase.Stamped? then Put(s.shards, q.id, q.phase.state) else s.shards)
    else s
  }

  function CollectorStep(s: Server, sweep: CacheRuns.Sweep): (t: Server)
    requires InRange(s)
    ensures InRange(t)
  {
    s.(shards := CacheRuns.Swept(s.shards, s.gc, sweep),
       gc := CacheRuns.CollectorNext(s.shards, s.gc, s.clock, sweep))
  }

  function ServerNext(w: World, s: Server, step: ServerStep): (t: Server)
    requires InRange(s)
    ensures InRange(t)
  {
    if step.Client? then ClientStep(w, s, step.step) else CollectorStep(s, step.sweep)
  }

  function ServerRun(w: World, s: Server, steps: seq<ServerStep>): (t: Server)
    requires InRange(s)
    ensures InRange(t)
    decreases |steps|
  {
    if steps == [] then s else ServerRun(w, ServerNext(w, s, steps[0]), steps[1..])
  }

  /** The steps the clients see. */
  function ClientSteps(steps: seq<ServerStep>): seq<Step> {
    if steps == [] then []
    else (if steps[0].Client? then [steps[0].step] else []) + ClientSteps(steps[1..])
  }

  // ----- the refinement -----

  /** Equal, except that an entry expired in the plain map may already be gone from the shards. */
  ghost predicate SameRequest(a: Request, b: Request, clock: int) {
    a == b
    || (a.id == b.id && a.payload == b.payload && a.phase.Took? && b.phase.Took?
        && CacheRuns.Matches(a.phase.entry, b.phase.entry, clock))
  }

  ghost predicate SameRequests(a: map<nat, Request>, b: map<nat, Request>, clock: int) {
    a.Keys == b.Keys && forall r :: r in a ==> SameRequest(a[r], b[r], clock)
  }

  ghost predicate Refines(s: Server, p: State) {
    && InRange(s) && Placed(s.shards)
    && s.clock == p.clock
    && CacheRuns.CollectorFits(s.gc, s.clock)
    && CacheRuns.ItemsMatch(s.shards, p.store, s.clock)
    && SameRequests(s.requests, p.requests, s.clock)
  }

  /** Matching entries lead to the same step: what has expired is a miss either way. */
  lemma MovedSame(w: World, a: Request, b: Request, step: Step, clock: int,
                  here: Option<SessionState>, there: Option<SessionState>)
    requires SameRequest(a, b, clock) && CacheRuns.Matches(here, there, clock)
    ensures SameRequest(Moved(w, a, step, clock, here), Moved(w, b, step, clock, there), clock)
  {
    hide Reply;
  }

  lemma TimeKeepsRequests(a: map<nat, Request>, b: map<nat, Request>, before: int, after: int)
    requires SameRequests(a, b, before) && before <= after
    ensures SameRequests(a, b, after)
  {
    forall r | r in a ensures SameRequest(a[r], b[r], after) {
      assert SameRequest(a[r], b[r], before);
    }
  }

  lemma RequestMoved(a: map<nat, Request>, b: map<nat, Request>, r: nat, x: Request, y: Request, clock: int)
    requires SameRequests(a, b, clock) && SameRequest(x, y, clock)
    ensures SameRequests(a[r := x], b[r := y], clock)
  {
    hide SameRequest;
  }

  lemma ClientRefines(w: World, s: Server, p: State, step: Step)
    requires Refines(s, p)
    ensures Refines(ClientStep(w, s, step), Next(w, p, step))
  {
    hide Placed, Put, Lookup, Find, Moved, SameRequests, SameRequest;
    match step
    case Advance(d) =>
      CacheRuns.TimePasses(s.shards, p.store, s.clock, s.clock + d);
      TimeKeepsRequests(s.requests, p.requests, s.clock, s.clock + d);
    case Arrive(r, id, payload) =>
      RequestKeys(s.requests, p.requests, s.clock, r);
      NewRequest(Request(id, payload, Arrived), s.clock);
      RequestMoved(s.requests, p.requests, r, Request(id, payload, Arrived), Request(id, payload, Arrived), s.clock);
    case _ =>
      RequestKeys(s.requests, p.requests, s.clock, step.r);
      if step.r in s.requests {
        OwnStepRefines(w, s, p, step);
      }
  }

  lemma RequestKeys(a: map<nat, Request>, b: map<nat, Request>, clock: int, r: nat)
    requires SameRequests(a, b, clock)
    ensures r in a <==> r in b
    ensures r in a ==> SameRequest(a[r], b[r], clock)
  {
  }

  lemma NewRequest(q: Request, clock: int)
    ensures SameRequest(q, q, clock)
  {
  }

  lemma SameStamp(a: Request, b: Request, clock: int)
    requires SameRequest(a, b, clock)
    ensures a.id == b.id && (a.phase.Stamped? <==> b.phase.Stamped?)
    ensures a.phase.Stamped? ==> a == b
  {
  }

  lemma OwnStepRefines(w: World, s: Server, p: State, step: Step)
    requires Refines(s, p) && !step.Advance? && !step.Arrive?
    requires step.r in s.requests && step.r in p.requests
    ensures Refines(ClientStep(w, s, step), Next(w, p, step))
  {
    hide Placed, Put, Lookup, Find, Moved, SameRequests, SameRequest;
    var a, b := s.requests[step.r], p.requests[step.r];
    RequestKeys(s.requests, p.requests, s.clock, step.r);
    SameStamp(a, b, s.clock);
    CacheRuns.LookupMatches(s.shards, p.store, a.id, s.clock);
    var here, there := Lookup(s.shards, a.id), Find(p.store, a.id);
    MovedSame(w, a, b, step, s.clock, here, there);
    RequestMoved(s.requests, p.requests, step.r,
                 Moved(w, a, step, s.clock, here), Moved(w, b, step, s.clock, there), s.clock);
    if step.Store? && a.phase.Stamped? {
      CacheRuns.PutMatches(s.shards, p.store, a.id, a.phase.state, s.clock);
    }
  }

  lemma CollectorRefines(s: Server, p: State, sweep: CacheRuns.Sweep)
    requires Refines(s, p)
    ensures Refines(CollectorStep(s, sweep), p)
  {
    hide Placed, SameRequests, CacheRuns.Swept, CacheRuns.CollectorNext;
    CacheRuns.SweepMatches(s.shards, p.store, s.gc, s.clock, sweep);
  }

  lemma {:induction false} RunRefines(w: World, s: Server, p: State, steps: seq<ServerStep>)
    requires Refines(s, p)
    ensures Refines(ServerRun(w, s, steps), Run(w, p, ClientSteps(steps)))
    decreases |steps|
  {
    hide Refines, ClientStep, CollectorStep, Next;
    if steps != [] {
      var rest := ClientSteps(steps[1..]);
      RefinesInRange(s, p);
      if steps[0].Client? {
        ClientRefines(w, s, p, steps[0].step);
        RunRefines(w, ClientStep(w, s, steps[0].step), Next(w, p, steps[0].step), steps[1..]);
        assert ([steps[0].step] + rest)[0] == steps[0].step && ([steps[0].step] + rest)[1..] == rest;
      } else {
        CollectorRefines(s, p, steps[0].sweep);
        RunRefines(w, CollectorStep(s, steps[0].sweep), p, steps[1..]);
        assert [] + rest == rest;
      }
    }
  }

  lemma RefinesInRange(s: Server, p: State)
    requires Refines(s, p)
    ensures InRange(s)
  {
  }

  /** An empty cache at the given time. */
  function ServerStart(clock: int): (s: Server)
    ensures InRange(s)
  {
    Server(seq(NUM_SHARDS, _ => map[]), clock, CacheRuns.Waiting, map[])
  }

  lemma StartRefines(clock: int)
    ensures Refines(ServerStart(clock), State(map[], clock, map[]))
  {
    hide ShardOf;
  }

  lemma DoneSame(s: Server, p: State, r: nat)
    requires Refines(s, p) && r in s.requests && s.requests[r].phase.Done?
    ensures r in p.requests && p.requests[r] == s.requests[r]
  {
    RequestKeys(s.requests, p.requests, s.clock, r);
  }

  /**
   On the sharded cache, over every legal interleaving of requests, clock and collector:
   every answer is the one promised.
   */
  lemma ShardedSessionsAgree(w: World, clock: int, steps: seq<ServerStep>, r: nat)
    requires Legal(w, State(map[], clock, map[]), ClientSteps(steps))
    requires var s := ServerRun(w, ServerStart(clock), steps); r in s.requests && s.requests[r].phase.Done?
    ensures var q := ServerRun(w, ServerStart(clock), steps).requests[r];
      Promised(w, q.id, q.payload, q.phase.result)
  {
    hide Legal, Run, Promised, Refines, ServerRun, ServerStart;
    var plain := State(map[], clock, map[]);
    StartRefines(clock);
    RunRefines(w, ServerStart(clock), plain, steps);
    DoneSame(ServerRun(w, ServerStart(clock), steps), Run(w, plain, ClientSteps(steps)), r);
    SessionsAgree(w, plain, ClientSteps(steps), r);
  }

  /** Each strategy's round-trip condition on the unmasked text; asterisks need none. */
  ghost predicate GapCondition(strategy: Strategy, payload: string, spans: seq<Span>)
    requires Fits(spans, |payload|)
  {
    match strategy
    case TokenStrategy =>
      GapsTokenFree(TokenMapping(payload, spans), TokenPieces(payload, spans), Tail(payload, spans))
    case AsteriskStrategy => true
    case SyntheticStrategy =>
      forall keys :: |keys| == |spans| && SynthRun(payload, spans, keys) ==>
        Restorable(MappingOf(Pieces(payload, spans, keys)), Pieces(payload, spans, keys), Tail(payload, spans))
  }

  lemma ConditionUndoes(strategy: Strategy, payload: string, spans: seq<Span>, issued: Issued)
    requires Fits(spans, |payload|) && IssuedBy(strategy, payload, spans, issued)
    requires GapCondition(strategy, payload, spans) && (strategy.TokenStrategy? ==> TypesBracketFree(spans))
    ensures Undoes(issued, payload)
  {
    hide Undoes, GapsTokenFree, TypesBracketFree;
    match strategy
    case TokenStrategy => TokensUndo(payload, spans, issued);
    case AsteriskStrategy => AsterisksUndo(payload, spans, issued);
    case SyntheticStrategy => FakesUndo(payload, spans, issued);
  }

  /** The condition holds for whatever spans the detectors and the sort may give. */
  ghost predicate RoundTripCondition(e: Engine, payload: string, opts: Options)
    requires Sound(e, payload)
  {
    forall spans :: SpansOf(e, payload, opts.allowed, spans) ==>
      Fits(spans, |payload|) && GapCondition(opts.strategy, payload, spans)
  }

  /** What the service issues on such a payload is undone. */
  lemma ForwardUndone(e: Engine, payload: string, opts: Options, issued: Issued)
    requires Sound(e, payload) && IsForward(e, payload, opts, issued) && RoundTripCondition(e, payload, opts)
    requires opts.strategy.TokenStrategy? ==> DetectorsBracketFree(e)
    ensures Undoes(issued, payload)
  {
    hide GapCondition, IssuedBy, Undoes, Kept, DetectorsBracketFree, TypesBracketFree;
    var spans :| SpansOf(e, payload, opts.allowed, spans) && IssuedBy(opts.strategy, payload, spans, issued);
    if opts.strategy.TokenStrategy? {
      MergedBracketFree(e, payload, opts.allowed, spans);
    }
    ConditionUndoes(opts.strategy, payload, spans, issued);
  }

  lemma PromisedPayload(w: World, id: Key, result: string)
    requires Promised(w, id, w.mask(w.first(id)).masked, result)
    requires w.demaskEnabled && Undoes(w.mask(w.first(id)), w.first(id))
    ensures result == w.first(id)
  {
  }

  /**
   From the detectors to the last answer: over every legal interleaving on the sharded
   cache, whoever sends back the mask the service issued under an id gets the id's first
   payload, under the round-trip condition of the strategy.
   */
  lemma SessionRestores(w: World, clock: int, steps: seq<ServerStep>, r: nat, e: Engine, opts: Options)
    requires Legal(w, State(map[], clock, map[]), ClientSteps(steps))
    requires var s := ServerRun(w, ServerStart(clock), steps); r in s.requests && s.requests[r].phase.Done?
    requires w.demaskEnabled && (opts.strategy.TokenStrategy? ==> DetectorsBracketFree(e))
    requires var p := w.first(ServerRun(w, ServerStart(clock), steps).requests[r].id);
      Sound(e, p) && IsForward(e, p, opts, w.mask(p)) && RoundTripCondition(e, p, opts)
    ensures var q := ServerRun(w, ServerStart(clock), steps).requests[r];
      q.payload == w.mask(w.first(q.id)).masked ==> q.phase.result == w.first(q.id)
  {
    hide Legal, ServerRun, ServerStart, RoundTripCondition, IsForward, Undoes, Promised, Sound, DetectorsBracketFree;
    var q := ServerRun(w, ServerStart(clock), steps).requests[r];
    var p := w.first(q.id);
    ForwardUndone(e, p, opts, w.mask(p));
    ShardedSessionsAgree(w, clock, steps, r);
    if q.payload == w.mask(p).masked {
      PromisedPayload(w, q.id, q.phase.result);
    }
  }
}
