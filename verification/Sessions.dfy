/**
 The mask/demask protocol under concurrency. Each request reads the store once and, on a
 miss, writes it once; any number of requests interleave. Masking is a fixed function of
 the payload: options, detector results and the sort stay the same during a session.
 */
module Sessions {
  import opened Common
  import opened Types
  import opened Spans
  import opened Replacer
  import opened Tokens
  import opened Weaving
  import opened Maskers
  import opened RoundTrips
  import opened Cache
  import opened Service

  /** The first payload of every id, what masking a payload issues, and whether demasking is on. */
  datatype World = World(first: Key -> string, mask: string -> Issued, demaskEnabled: bool)

  /**
   Before `Get`; with the entry read under the lock; after the look at the clock, a miss
   or a hit; masked and stamped, about to be written; answered.
   */
  datatype Phase =
    | Arrived
    | Took(entry: Option<SessionState>)
    | Missed
    | Found(state: SessionState)
    | Stamped(state: SessionState)
    | Done(result: string)

  datatype Request = Request(id: Key, payload: string, phase: Phase)

  datatype State = State(store: map<Key, SessionState>, clock: int, requests: map<nat, Request>)

  datatype Step =
    | Advance(d: nat)
    | Arrive(r: nat, id: Key, payload: string)
    | Take(r: nat)
    | Check(r: nat)
    | Respond(r: nat)
    | Stamp(r: nat)
    | Store(r: nat)

  /** What becomes of a request at its own step, when the store holds `entry` under its id. */
  function Moved(w: World, q: Request, step: Step, clock: int, entry: Option<SessionState>): Request {
    match step
    case Take(_) => if q.phase.Arrived? then q.(phase := Took(entry)) else q
    case Check(_) =>
      if q.phase.Took?
      then
        var found := Live(q.phase.entry, clock);
        q.(phase := if found.Some? then Found(found.value) else Missed)
      else q
    case Respond(_) =>
      if q.phase.Found? then q.(phase := Done(Reply(q.phase.state, q.payload, w.demaskEnabled))) else q
    case Stamp(_) =>
      if q.phase.Missed?
      then
        var issued := w.mask(q.payload);
        q.(phase := Stamped(WithExpiry(SessionState(q.payload, issued.masked, issued.mapping, 0), clock)))
      else q
    case Store(_) => if q.phase.Stamped? then q.(phase := Done(q.phase.state.masked)) else q
    case _ => q
  }

  function Next(w: World, s: State, step: Step): State {
    if step.Advance? then s.(clock := s.clock + step.d)
    else if step.Arrive? then
      if step.r in s.requests then s
      else s.(requests := s.requests[step.r := Request(step.id, step.payload, Arrived)])
    else if step.r in s.requests then
      var q := s.requests[step.r];
      s.(requests := s.requests[step.r := Moved(w, q, step, s.clock, Find(s.store, q.id))],
         store := if step.Store? && q.phase.Stamped? then s.store[q.id := q.phase.state] else s.store)
    else s
  }

  predicate IsForwardRequest(w: World, q: Request) {
    q.payload == w.first(q.id)
  }

  /** Some forward request for `id` has been answered. */
  ghost predicate Served(w: World, s: State, id: Key) {
    exists r :: r in s.requests && s.requests[r].id == id && IsForwardRequest(w, s.requests[r])
      && s.requests[r].phase.Done?
  }

  /**
   The environment's part: a payload other than the first is sent only after some forward
   answer for the id, and finds its entry before it expires.
   */
  ghost predicate Allowed(w: World, s: State, step: Step) {
    match step
    case Arrive(r, id, payload) => payload == w.first(id) || Served(w, s, id)
    case Check(r) =>
      r in s.requests && !IsForwardRequest(w, s.requests[r])
      && s.requests[r].phase.Took? && s.requests[r].phase.entry.Some? ==>
        !Expired(s.requests[r].phase.entry.value, s.clock)
    case _ => true
  }

  ghost predicate Legal(w: World, s: State, steps: seq<Step>)
    decreases |steps|
  {
    steps == [] || (Allowed(w, s, steps[0]) && Legal(w, Next(w, s, steps[0]), steps[1..]))
  }

  function Run(w: World, s: State, steps: seq<Step>): State
    decreases |steps|
  {
    if steps == [] then s else Run(w, Next(w, s, steps[0]), steps[1..])
  }

  // ----- the invariant -----

  /** The session every forward request for `id` stores. */
  ghost predicate IsSession(w: World, id: Key, state: SessionState) {
    var issued := w.mask(w.first(id));
    state.original == w.first(id) && state.masked == issued.masked && state.mapping == issued.mapping
  }

  /** The answer the protocol owes a request. */
  ghost predicate RightAnswer(w: World, id: Key, payload: string, result: string) {
    exists state :: IsSession(w, id, state) && result == Reply(state, payload, w.demaskEnabled)
  }

  ghost predicate RightPhase(w: World, q: Request) {
    match q.phase
    case Arrived => true
    case Took(entry) => if entry.Some? then IsSession(w, q.id, entry.value) else IsForwardRequest(w, q)
    case Missed => IsForwardRequest(w, q)
    case Found(state) => IsSession(w, q.id, state)
    case Stamped(state) => IsForwardRequest(w, q) && IsSession(w, q.id, state)
    case Done(result) => RightAnswer(w, q.id, q.payload, result)
  }

  /** Has read an entry or been answered, or was sent by a client that has seen an answer. */
  predicate NeedsStore(w: World, q: Request) {
    (q.phase.Took? && q.phase.entry.Some?) || q.phase.Found? || q.phase.Done? || !IsForwardRequest(w, q)
  }

  ghost predicate Inv(w: World, s: State) {
    && (forall id :: id in s.store ==> IsSession(w, id, s.store[id]))
    && (forall r :: r in s.requests ==> RightPhase(w, s.requests[r]))
    && (forall r :: r in s.requests && NeedsStore(w, s.requests[r]) ==> s.requests[r].id in s.store)
  }

  /** A forward request's stamped session is the session of its id. */
  lemma StampedSession(w: World, q: Request, clock: int)
    requires IsForwardRequest(w, q)
    ensures var issued := w.mask(q.payload);
      IsSession(w, q.id, WithExpiry(SessionState(q.payload, issued.masked, issued.mapping, 0), clock))
  {
  }

  lemma StampedAnswer(w: World, q: Request, state: SessionState)
    requires IsForwardRequest(w, q) && IsSession(w, q.id, state)
    ensures RightAnswer(w, q.id, q.payload, state.masked)
  {
    assert state.masked == Reply(state, q.payload, w.demaskEnabled);
  }

  /** A request's own step keeps it right. */
  lemma MovedRight(w: World, q: Request, step: Step, clock: int, entry: Option<SessionState>)
    requires RightPhase(w, q)
    requires entry.Some? ==> IsSession(w, q.id, entry.value)
    requires entry.None? && q.phase.Arrived? ==> IsForwardRequest(w, q)
    requires step.Check? && !IsForwardRequest(w, q) && q.phase.Took? && q.phase.entry.Some? ==>
      !Expired(q.phase.entry.value, clock)
    ensures RightPhase(w, Moved(w, q, step, clock, entry))
    ensures Moved(w, q, step, clock, entry).id == q.id && Moved(w, q, step, clock, entry).payload == q.payload
  {
    hide Reply, IsSession;
    match q.phase
    case Arrived =>
    case Took(_) =>
    case Missed => StampedSession(w, q, clock);
    case Found(state) => assert RightAnswer(w, q.id, q.payload, Reply(state, q.payload, w.demaskEnabled));
    case Stamped(state) => StampedAnswer(w, q, state);
    case Done(_) =>
  }

  /** Every legal step keeps the invariant, whoever takes it. */
  lemma StepKeeps(w: World, s: State, step: Step)
    requires Inv(w, s) && Allowed(w, s, step)
    ensures Inv(w, Next(w, s, step))
  {
    hide IsSession, RightPhase;
    match step
    case Advance(_) =>
    case Arrive(_, id, payload) => ArrivedRight(w, Request(id, payload, Arrived));
    case _ =>
      if step.r in s.requests {
        var q := s.requests[step.r];
        MovedRight(w, q, step, s.clock, Find(s.store, q.id));
        PhaseSession(w, q);
      }
  }

  lemma ArrivedRight(w: World, q: Request)
    requires q.phase.Arrived?
    ensures RightPhase(w, q)
  {
  }

  lemma PhaseSession(w: World, q: Request)
    requires RightPhase(w, q)
    ensures q.phase.Stamped? ==> IsForwardRequest(w, q) && IsSession(w, q.id, q.phase.state)
  {
  }

  lemma {:induction false} RunKeeps(w: World, s: State, steps: seq<Step>)
    requires Inv(w, s) && Legal(w, s, steps)
    ensures Inv(w, Run(w, s, steps))
    decreases |steps|
  {
    hide Inv, Next, Allowed;
    if steps != [] {
      StepKeeps(w, s, steps[0]);
      RunKeeps(w, Next(w, s, steps[0]), steps[1..]);
    }
  }

  /** A store may already hold expired or live sessions of the same world, but no requests. */
  ghost predicate Start(w: World, s: State) {
    s.requests == map[] && forall id :: id in s.store ==> IsSession(w, id, s.store[id])
  }

  lemma StartInv(w: World, s: State)
    requires Start(w, s)
    ensures Inv(w, s)
  {
  }

  // ----- the protocol's promises -----

  /** The reverse step gives back the payload for its own mask. */
  ghost predicate Undoes(issued: Issued, payload: string) {
    issued.mapping == map[] || Replace(issued.mapping, issued.masked) == payload
  }

  /**
   What the protocol owes a request: the first payload gets the one mask of its id. With
   demasking on, the mask gets the first payload back and any other text is demasked with
   the one mapping of the id, if it has one; with demasking off it comes back as it is.
   */
  ghost predicate Promised(w: World, id: Key, payload: string, result: string) {
    var p, issued := w.first(id), w.mask(w.first(id));
    if payload == p then result == issued.masked
    else if !w.demaskEnabled then result == payload
    else
      && (payload == issued.masked && Undoes(issued, p) ==> result == p)
      && (issued.mapping != map[] ==> result == Replace(issued.mapping, payload))
      && (issued.mapping == map[] && payload != issued.masked ==> result == payload)
  }

  lemma AnswerPromised(w: World, id: Key, payload: string, result: string)
    requires RightAnswer(w, id, payload, result)
    ensures Promised(w, id, payload, result)
  {
  }

  /**
   Over every legal interleaving every answer is as promised, although reads and writes
   race: all forward requests for an id get one mask, and it is undone for everyone.
   */
  lemma SessionsAgree(w: World, start: State, steps: seq<Step>, r: nat)
    requires Start(w, start) && Legal(w, start, steps)
    requires var s := Run(w, start, steps); r in s.requests && s.requests[r].phase.Done?
    ensures var q := Run(w, start, steps).requests[r];
      Promised(w, q.id, q.payload, q.phase.result)
  {
    hide Legal, Run, Promised, RightAnswer, Next;
    StartInv(w, start);
    RunKeeps(w, start, steps);
    var q := Run(w, start, steps).requests[r];
    assert RightPhase(w, q);
    AnswerPromised(w, q.id, q.payload, q.phase.result);
  }

  // ----- the three strategies -----

  /** Tokens undo when no issued placeholder occurs in the unmasked text. */
  lemma TokensUndo(payload: string, spans: seq<Span>, issued: Issued)
    requires Fits(spans, |payload|) && TypesBracketFree(spans)
    requires IssuedBy(TokenStrategy, payload, spans, issued)
    requires GapsTokenFree(TokenMapping(payload, spans), TokenPieces(payload, spans), Tail(payload, spans))
    ensures Undoes(issued, payload)
  {
    TokenRoundTrip(payload, spans);
  }

  /** Fakes undo when none of them matches out of place. */
  lemma FakesUndo(payload: string, spans: seq<Span>, issued: Issued)
    requires Fits(spans, |payload|) && IssuedBy(SyntheticStrategy, payload, spans, issued)
    requires forall keys :: |keys| == |spans| && SynthRun(payload, spans, keys) ==>
      Restorable(MappingOf(Pieces(payload, spans, keys)), Pieces(payload, spans, keys), Tail(payload, spans))
    ensures Undoes(issued, payload)
  {
    hide SynthRun, Restorable, Replace, Woven, Pieces;
    var keys :| FakedBy(payload, spans, keys, issued.masked, issued.mapping);
    SyntheticRoundTrip(payload, spans, keys);
  }

  /** Asterisks always undo: the original comes from the store. */
  lemma AsterisksUndo(payload: string, spans: seq<Span>, issued: Issued)
    requires Fits(spans, |payload|) && IssuedBy(AsteriskStrategy, payload, spans, issued)
    ensures Undoes(issued, payload)
  {
  }
}
